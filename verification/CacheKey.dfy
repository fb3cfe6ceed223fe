/** The text that is hashed into the key of a cached Python environment. */
module CacheKey {
  import opened Text

  // ---- lines ----

  /** The characters `str.splitlines` breaks at. */
  predicate IsBreak(c: char) {
    var n := c as int;
    0x0a <= n <= 0x0d || 0x1c <= n <= 0x1e || n == 0x85 || n == 0x2028 || n == 0x2029
  }

  predicate OneLine(s: string) {
    forall c <- s :: !IsBreak(c)
  }

  /** The position of the first line break, or the length. */
  function FirstBreak(s: string): (i: nat)
    ensures i <= |s| && OneLine(s[..i]) && (i < |s| ==> IsBreak(s[i]))
  {
    if s == "" || IsBreak(s[0]) then 0
    else
      var i := 1 + FirstBreak(s[1..]);
      assert s[..i] == [s[0]] + s[1..][..i - 1];
      i
  }

  /** `str.splitlines`: a carriage return and a line feed break once. */
  function SplitLines(s: string): (lines: seq<string>)
    ensures forall l <- lines :: OneLine(l)
    decreases |s|
  {
    if s == "" then []
    else
      var i := FirstBreak(s);
      if i == |s| then [s]
      else
        var after := if s[i] == '\r' && i + 1 < |s| && s[i + 1] == '\n' then i + 2 else i + 1;
        [s[..i]] + SplitLines(s[after..])
  }

  /** Trimmed lines that are neither blank nor comments. */
  function Meaningful(lines: seq<string>): seq<string> {
    if lines == [] then []
    else
      var l := Strip(lines[0]);
      (if l != "" && l[0] != '#' then [l] else []) + Meaningful(lines[1..])
  }

  function Requirements(text: string): seq<string> {
    Meaningful(SplitLines(text))
  }

  /** The requirements are the lines that are neither blank nor comments, stripped, as often as they occur. */
  lemma {:induction false} MeaningfulCount(lines: seq<string>, l: string)
    ensures multiset(Meaningful(lines))[l] == if l == "" || l[0] == '#' then 0 else Occurrences(lines, l)
  {
    if lines == [] {
    } else {
      MeaningfulCount(lines[1..], l);
    }
  }

  function Occurrences(lines: seq<string>, l: string): nat {
    if lines == [] then 0 else Occurrences(lines[1..], l) + if Strip(lines[0]) == l then 1 else 0
  }

  // ---- order ----

  /** Python's order on strings. */
  predicate Le(a: string, b: string) {
    a == "" || (b != "" && (a[0] < b[0] || (a[0] == b[0] && Le(a[1..], b[1..]))))
  }

  lemma {:induction false} LeTotal(a: string, b: string)
    ensures Le(a, b) || Le(b, a)
  {
    if a != "" && b != "" { LeTotal(a[1..], b[1..]); }
  }

  lemma {:induction false} LeAntisymmetric(a: string, b: string)
    requires Le(a, b) && Le(b, a)
    ensures a == b
  {
    if a != "" && b != "" {
      LeAntisymmetric(a[1..], b[1..]);
      assert a == [a[0]] + a[1..] && b == [b[0]] + b[1..];
    }
  }

  lemma {:induction false} LeTransitive(a: string, b: string, c: string)
    requires Le(a, b) && Le(b, c)
    ensures Le(a, c)
  {
    if a != "" && a[0] == b[0] == c[0] { LeTransitive(a[1..], b[1..], c[1..]); }
  }

  predicate Sorted(s: seq<string>) {
    forall i, j :: 0 <= i < j < |s| ==> Le(s[i], s[j])
  }

  function Insert(x: string, s: seq<string>): seq<string> {
    if s == [] || Le(x, s[0]) then [x] + s else [s[0]] + Insert(x, s[1..])
  }

  /** `sorted`. */
  function Sort(s: seq<string>): seq<string> {
    if s == [] then [] else Insert(s[0], Sort(s[1..]))
  }

  lemma {:induction false} InsertElements(x: string, s: seq<string>)
    ensures multiset(Insert(x, s)) == multiset(s) + multiset{x}
  {
    if s != [] && !Le(x, s[0]) {
      InsertElements(x, s[1..]);
      assert s == [s[0]] + s[1..];
    }
  }

  lemma SortedTail(s: seq<string>)
    requires s != []
    ensures Sorted(s) <==> Sorted(s[1..]) && forall y <- s[1..] :: Le(s[0], y)
  {
    var t := s[1..];
    if Sorted(t) && forall y <- t :: Le(s[0], y) {
      forall i, j | 0 <= i < j < |s|
        ensures Le(s[i], s[j])
      {
        assert s[j] == t[j - 1] && s[j] in t;
        if i > 0 { assert s[i] == t[i - 1]; }
      }
    }
    if Sorted(s) {
      assert forall i :: 0 <= i < |t| ==> t[i] == s[i + 1];
    }
  }

  lemma {:induction false} InsertSorted(x: string, s: seq<string>)
    requires Sorted(s)
    ensures Sorted(Insert(x, s))
  {
    var r := Insert(x, s);
    if s == [] {
    } else if Le(x, s[0]) {
      SortedTail(s);
      assert r[1..] == s;
      forall y | y in s
        ensures Le(x, y)
      {
        if y != s[0] {
          assert y in s[1..];
          LeTransitive(x, s[0], y);
        }
      }
      SortedTail(r);
    } else {
      SortedTail(s);
      InsertSorted(x, s[1..]);
      InsertElements(x, s[1..]);
      LeTotal(x, s[0]);
      assert r[1..] == Insert(x, s[1..]);
      forall y | y in r[1..]
        ensures Le(s[0], y)
      {
        assert y in multiset(r[1..]);
        assert y == x || y in s[1..];
      }
      SortedTail(r);
    }
  }

  lemma {:induction false} SortIsSorting(s: seq<string>)
    ensures Sorted(Sort(s)) && multiset(Sort(s)) == multiset(s)
  {
    if s == [] {
    } else {
      SortIsSorting(s[1..]);
      InsertSorted(s[0], Sort(s[1..]));
      InsertElements(s[0], Sort(s[1..]));
      TailElements(s);
    }
  }

  lemma LeRefl(a: string)
    ensures Le(a, a)
  {
  }

  lemma HeadLeast(s: seq<string>, x: string)
    requires Sorted(s) && x in s
    ensures Le(s[0], x)
  {
    LeRefl(s[0]);
  }

  /** A multiset of lines has one sorted arrangement. */
  lemma {:induction false} SortedUnique(a: seq<string>, b: seq<string>)
    requires Sorted(a) && Sorted(b) && multiset(a) == multiset(b)
    ensures a == b
  {
    assert |multiset(a)| == |a| && |multiset(b)| == |b|;
    if a == [] {
    } else {
      SameHead(a, b);
      TailElements(a);
      TailElements(b);
      SortedTail(a);
      SortedTail(b);
      SortedUnique(a[1..], b[1..]);
      assert a == [a[0]] + a[1..] && b == [b[0]] + b[1..];
    }
  }

  lemma SameHead(a: seq<string>, b: seq<string>)
    requires Sorted(a) && Sorted(b) && multiset(a) == multiset(b) && a != [] && b != []
    ensures a[0] == b[0]
  {
    assert a[0] in multiset(b) && b[0] in multiset(a);
    HeadLeast(b, a[0]);
    HeadLeast(a, b[0]);
    LeAntisymmetric(a[0], b[0]);
  }

  lemma TailElements(s: seq<string>)
    requires s != []
    ensures multiset(s[1..]) == multiset(s) - multiset{s[0]}
  {
    assert s == [s[0]] + s[1..];
  }

  // ---- the normal form ----

  function Normalize(text: string): string {
    Join(Sort(Requirements(text)), '\n')
  }

  /** Lines a normal form is made of. */
  predicate Clean(l: string) {
    l != "" && OneLine(l) && Stripped(l) && l[0] != '#'
  }

  lemma {:induction false} MeaningfulClean(lines: seq<string>, l: string)
    requires l in Meaningful(lines) && forall x <- lines :: OneLine(x)
    ensures Clean(l)
  {
    assert lines[0] in lines;
    if l in Meaningful(lines[1..]) {
      MeaningfulClean(lines[1..], l);
    } else {
      assert forall c <- Strip(lines[0]) :: c in lines[0];
    }
  }

  lemma SortedLinesClean(text: string)
    ensures forall l <- Sort(Requirements(text)) :: Clean(l)
  {
    SortIsSorting(Requirements(text));
    forall l | l in Sort(Requirements(text))
      ensures Clean(l)
    {
      assert l in multiset(Sort(Requirements(text)));
      MeaningfulClean(SplitLines(text), l);
    }
  }

  lemma CleanNoBreak(l: string)
    requires Clean(l)
    ensures '\n' !in l
  {
    assert IsBreak('\n');
  }

  /** Joining sorted requirement lines loses nothing. */
  lemma JoinInjective(a: seq<string>, b: seq<string>)
    requires (forall l <- a :: Clean(l)) && (forall l <- b :: Clean(l))
    requires Join(a, '\n') == Join(b, '\n')
    ensures a == b
  {
    forall l | l in a || l in b
      ensures '\n' !in l && l != ""
    {
      CleanNoBreak(l);
    }
    JoinEmptyIff(a);
    JoinEmptyIff(b);
    if a != [] {
      SplitJoin(a, '\n');
      SplitJoin(b, '\n');
    }
  }

  lemma JoinEmptyIff(lines: seq<string>)
    requires forall l <- lines :: Clean(l)
    ensures Join(lines, '\n') == "" <==> lines == []
  {
    if lines != [] { assert lines[0] in lines; }
  }

  /** Two texts have the same normal form exactly when they have the same requirement lines, counted,
      in whatever order and among whatever blank lines, comments and spaces. */
  lemma NormalizeCanonical(a: string, b: string)
    ensures Normalize(a) == Normalize(b) <==> multiset(Requirements(a)) == multiset(Requirements(b))
  {
    var x, y := Sort(Requirements(a)), Sort(Requirements(b));
    SortIsSorting(Requirements(a));
    SortIsSorting(Requirements(b));
    SortedLinesClean(a);
    SortedLinesClean(b);
    if Normalize(a) == Normalize(b) { JoinInjective(x, y); }
    if multiset(x) == multiset(y) { SortedUnique(x, y); }
  }

  // ---- normalising twice ----

  lemma {:induction false} BreakAfter(l: string, rest: string)
    requires OneLine(l)
    ensures FirstBreak(l) == |l| && FirstBreak(l + ['\n'] + rest) == |l|
  {
    assert IsBreak('\n');
    var s := l + ['\n'] + rest;
    if l == "" {
    } else {
      assert l[0] in l;
      BreakAfter(l[1..], rest);
      assert s[1..] == l[1..] + ['\n'] + rest;
    }
  }

  lemma {:induction false} LinesOfJoin(lines: seq<string>)
    requires forall l <- lines :: Clean(l)
    ensures SplitLines(Join(lines, '\n')) == lines
  {
    if lines == [] {
    } else {
      var l := lines[0];
      assert l in lines;
      var rest := Join(lines[1..], '\n');
      BreakAfter(l, rest);
      if |lines| > 1 {
        LinesOfJoin(lines[1..]);
        var s := l + ['\n'] + rest;
        assert s[..|l|] == l && s[|l| + 1..] == rest;
        assert [l] + lines[1..] == lines;
      } else {
        assert lines == [l];
      }
    }
  }

  lemma {:induction false} CleanMeaningful(lines: seq<string>)
    requires forall l <- lines :: Clean(l)
    ensures Meaningful(lines) == lines
  {
    if lines == [] {
    } else {
      assert lines[0] in lines;
      StripIff(lines[0]);
      CleanMeaningful(lines[1..]);
      assert [lines[0]] + lines[1..] == lines;
    }
  }

  /** A normal form is its own normal form, and has the requirements of the text it came from. */
  lemma NormalizeIdempotent(text: string)
    ensures Normalize(Normalize(text)) == Normalize(text)
    ensures multiset(Requirements(Normalize(text))) == multiset(Requirements(text))
  {
    var lines := Sort(Requirements(text));
    SortIsSorting(Requirements(text));
    SortedLinesClean(text);
    LinesOfJoin(lines);
    CleanMeaningful(lines);
    assert Requirements(Normalize(text)) == lines;
    NormalizeCanonical(Normalize(text), text);
  }
}
