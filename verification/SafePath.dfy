/** Sanitised relative paths: build-context file names and input destinations. */
module SafePath {
  import opened Text

  const MAX_PATH := 200
  const MAX_INPUTS := 20
  const MAX_URI := 1000
  const MAX_FILES := 64
  const MAX_DOCKERFILE := 65536
  const MAX_FILE := 262144

  /** `s[:n]`. */
  function Prefix(s: string, n: nat): string {
    if |s| <= n then s else s[..n]
  }

  /** Backslashes become slashes. */
  function Slashed(s: string): string {
    if s == "" then "" else [if s[0] == '\\' then '/' else s[0]] + Slashed(s[1..])
  }

  lemma {:induction false} SlashedChars(s: string)
    ensures '\\' !in Slashed(s)
  {
    if s == "" {
    } else {
      SlashedChars(s[1..]);
    }
  }

  function DropSlashes(s: string): string {
    if s != "" && s[0] == '/' then DropSlashes(s[1..]) else s
  }

  lemma {:induction false} DropSlashesChars(s: string, c: char)
    requires c != '/'
    ensures c in DropSlashes(s) <==> c in s
  {
    if s != "" && s[0] == '/' { DropSlashesChars(s[1..], c); }
  }

  function NonTrivial(parts: seq<string>): seq<string> {
    if parts == [] then []
    else (if parts[0] == "" || parts[0] == "." then [] else [parts[0]]) + NonTrivial(parts[1..])
  }

  lemma {:induction false} NonTrivialIff(parts: seq<string>, p: string)
    ensures p in NonTrivial(parts) <==> p in parts && p != "" && p != "."
  {
    if parts == [] {
    } else {
      NonTrivialIff(parts[1..], p);
    }
  }

  /** The components of a path that move at all. */
  function Components(path: string): seq<string> {
    NonTrivial(Split(path, '/'))
  }

  predicate Printable(s: string) {
    forall c <- s :: 32 <= c as int
  }

  /** `_safe_build_path`; the empty string is a refusal. */
  function Sanitize(s: string): string {
    var rel := DropSlashes(Slashed(Strip(s)));
    if rel == "" || rel != Strip(rel) || ':' in rel || !Printable(rel) then ""
    else
      var parts := Components(rel);
      if ".." in parts then "" else Prefix(Join(parts, '/'), MAX_PATH)
  }

  // ---- containment ----

  function Move(component: string): int {
    if component == "" || component == "." then 0 else if component == ".." then -1 else 1
  }

  /** Following the components one by one from this depth never rises above the base. */
  predicate StaysInside(parts: seq<string>, depth: int) {
    parts == [] || (depth + Move(parts[0]) >= 0 && StaysInside(parts[1..], depth + Move(parts[0])))
  }

  /** Names that are safe to append to a directory. */
  predicate Contained(path: string) {
    && StaysInside(Split(path, '/'), 0)
    && (path == "" || path[0] != '/')
    && ':' !in path && '\\' !in path && Printable(path) && |path| <= MAX_PATH
  }

  predicate Plain(parts: seq<string>) {
    forall p <- parts :: p != "" && p != "." && p != ".." && '/' !in p
  }

  lemma JoinLong(parts: seq<string>)
    requires parts != [] && Plain(parts)
    ensures parts[0] != "" && parts[0] <= Join(parts, '/')
  {
    assert parts[0] in parts;
  }

  /** Cut anywhere, a joined path is its leading components and a beginning of the next one. A cut can
      make a `..` of the last component, but only below depth 0, or after at most two characters. */
  lemma {:induction false} CutStaysInside(parts: seq<string>, k: nat, depth: nat)
    requires Plain(parts) && (depth > 0 || k > 2 || k >= |Join(parts, '/')|)
    ensures StaysInside(Split(Prefix(Join(parts, '/'), k), '/'), depth)
  {
    var all := Join(parts, '/');
    if parts == [] {
      assert Split("", '/') == [""];
    } else if k <= |parts[0]| {
      var p := parts[0][..k];
      JoinLong(parts);
      assert Prefix(all, k) == p;
      assert parts[0] in parts;
      assert forall c <- p :: c in parts[0];
      SplitPiece(p, '/');
      assert k == |parts[0]| ==> p == parts[0];
    } else if |parts| == 1 {
      SplitPiece(parts[0], '/');
    } else {
      var head, rest := parts[0], Join(parts[1..], '/');
      var k' := k - |head| - 1;
      assert Prefix(all, k) == head + ['/'] + Prefix(rest, k');
      SplitHead(head, '/', Prefix(rest, k'));
      CutStaysInside(parts[1..], k', depth + 1);
    }
  }

  lemma ComponentsPlain(path: string)
    requires ".." !in Components(path)
    ensures Plain(Components(path))
  {
    forall p | p in Components(path)
      ensures p != "" && p != "." && '/' !in p
    {
      NonTrivialIff(Split(path, '/'), p);
    }
  }

  lemma {:induction false} JoinChars(parts: seq<string>, c: char)
    requires c in Join(parts, '/')
    ensures c == '/' || exists p <- parts :: c in p
  {
    if |parts| > 1 && c !in parts[0] && c != '/' {
      assert c in Join(parts[1..], '/');
      JoinChars(parts[1..], c);
    } else if |parts| > 0 && c in parts[0] {
      assert parts[0] in parts;
    }
  }

  lemma {:induction false} SplitChars(s: string, d: char, p: string, c: char)
    requires p in Split(s, d) && c in p
    ensures c in s
  {
    if s == "" {
    } else {
      var rest := Split(s[1..], d);
      if p in rest {
        SplitChars(s[1..], d, p, c);
      } else if s[0] != d && c != s[0] {
        assert p == [s[0]] + rest[0];
        SplitChars(s[1..], d, rest[0], c);
      }
    }
  }

  lemma SanitizedChars(s: string, c: char)
    requires c in Sanitize(s)
    ensures c == '/' || c in DropSlashes(Slashed(Strip(s)))
  {
    var rel := DropSlashes(Slashed(Strip(s)));
    var parts := Components(rel);
    JoinChars(parts, c);
    if c != '/' {
      var p :| p in parts && c in p;
      NonTrivialIff(Split(rel, '/'), p);
      SplitChars(rel, '/', p, c);
    }
  }

  /** Every result stays inside the base directory: no way up, not absolute, no drive, stream, backslash
      or control character. */
  lemma SanitizeContained(s: string)
    ensures Contained(Sanitize(s))
  {
    var r := Sanitize(s);
    var rel := DropSlashes(Slashed(Strip(s)));
    if r == "" {
      assert Split("", '/') == [""];
    } else {
      var parts := Components(rel);
      ComponentsPlain(rel);
      SlashedChars(Strip(s));
      CutStaysInside(parts, MAX_PATH, 0);
      if parts != [] {
        JoinLong(parts);
        assert parts[0] in parts;
        assert r[0] == parts[0][0] && parts[0][0] in parts[0];
      }
      forall c | c in r
        ensures c != ':' && c != '\\' && 32 <= c as int
      {
        SanitizedChars(s, c);
        DropSlashesChars(Slashed(Strip(s)), '\\');
      }
    }
  }

  // ---- what is kept ----

  lemma {:induction false} LeadingSlashes(s: string)
    ensures Components(DropSlashes(s)) == Components(s)
  {
    if s != "" && s[0] == '/' {
      LeadingSlashes(s[1..]);
      assert Split(s, '/')[1..] == Split(s[1..], '/');
    }
  }

  lemma {:induction false} PlainStay(parts: seq<string>)
    requires Plain(parts)
    ensures NonTrivial(parts) == parts
  {
    if parts == [] {
    } else {
      PlainStay(parts[1..]);
      assert parts[0] in parts;
      assert [parts[0]] + parts[1..] == parts;
    }
  }

  /** Which inputs are refused. */
  predicate Acceptable(s: string) {
    var t := Slashed(Strip(s));
    && ':' !in t && Printable(t) && Stripped(DropSlashes(t))
    && Components(t) != [] && ".." !in Components(t)
  }

  lemma SameWarnings(t: string)
    ensures ':' in DropSlashes(t) <==> ':' in t
    ensures Printable(DropSlashes(t)) <==> Printable(t)
  {
    DropSlashesChars(t, ':');
    forall c: char | c as int < 32
      ensures c in DropSlashes(t) <==> c in t
    {
      DropSlashesChars(t, c);
    }
  }

  /** A path is accepted exactly when it is acceptable; then, unless it is longer than the limit, it
      keeps exactly the components that move. */
  lemma SanitizeMeans(s: string)
    ensures Sanitize(s) != "" <==> Acceptable(s)
    ensures var parts := Components(Slashed(Strip(s)));
            Acceptable(s) && |Join(parts, '/')| <= MAX_PATH ==> Split(Sanitize(s), '/') == parts == Components(Sanitize(s))
  {
    var t := Slashed(Strip(s));
    var rel := DropSlashes(t);
    LeadingSlashes(t);
    StripIff(rel);
    SameWarnings(t);
    assert rel == "" ==> Components(t) == [] by { assert Split("", '/') == [""]; }
    var parts := Components(t);
    if parts != [] && ".." !in parts {
      ComponentsPlain(t);
      JoinLong(parts);
      SplitJoin(parts, '/');
      PlainStay(parts);
    }
  }

  lemma {:induction false} SlashedSame(s: string)
    requires '\\' !in s
    ensures Slashed(s) == s
  {
    if s == "" {
    } else {
      SlashedSame(s[1..]);
      assert [s[0]] + s[1..] == s;
    }
  }

  lemma TwoComponents(a: string, b: string)
    requires Plain([a, b])
    ensures Components(a + ['/'] + b) == [a, b] && Join([a, b], '/') == a + ['/'] + b
  {
    assert a in [a, b] && b in [a, b];
    SplitHead(a, '/', b);
    SplitPiece(b, '/');
    PlainStay([a, b]);
  }

  /** An input without anything to clean is cut and nothing else. */
  lemma PlainInput(a: string, b: string)
    requires Plain([a, b]) && '\\' !in a + b && ':' !in a + b && Printable(a + b) && Stripped(a + b)
    ensures var s := a + ['/'] + b; Acceptable(s) && Sanitize(s) == Prefix(s, MAX_PATH)
  {
    var s := a + ['/'] + b;
    assert a in [a, b] && b in [a, b];
    assert forall c <- s :: c == '/' || c in a + b;
    assert s[0] == (a + b)[0] == a[0] && a[0] in a && s[|s| - 1] == (a + b)[|a + b| - 1];
    StripIff(s);
    SlashedSame(s);
    TwoComponents(a, b);
  }

  /** The cut can indeed leave a way up at the end, although the input had none. */
  lemma CutLeavesDotDot(a: string)
    requires |a| == 197 && '/' !in a && '\\' !in a && ':' !in a && Printable(a) && Stripped(a)
    ensures Acceptable(a + ['/'] + "..x") && Sanitize(a + ['/'] + "..x") == a + ['/'] + ".."
  {
    var b := "..x";
    var s := a + ['/'] + b;
    assert forall c <- a + b :: c in a || c == '.' || c == 'x';
    assert (a + b)[0] == a[0] && (a + b)[|a + b| - 1] == 'x';
    assert '/' !in b;
    PlainInput(a, b);
    assert s[..MAX_PATH] == a + ['/'] + "..";
  }

  // ---- lists of them ----

  datatype Input = Input(uri: string, dest: string)

  /** One entry normalised: at most one row. */
  function Normalized(e: Input): seq<Input> {
    var uri, dest := Prefix(Strip(e.uri), MAX_URI), Sanitize(e.dest);
    if uri != "" && dest != "" then [Input(uri, dest)] else []
  }

  /** What every element gives, one after the other. */
  function Collect<A, B>(f: A -> seq<B>, s: seq<A>): seq<B> {
    if s == [] then [] else Collect(f, s[..|s| - 1]) + f(s[|s| - 1])
  }

  lemma {:induction false} CollectConcat<A, B>(f: A -> seq<B>, s: seq<A>, t: seq<A>)
    ensures Collect(f, s + t) == Collect(f, s) + Collect(f, t)
  {
    if t == [] {
      assert s + t == s;
    } else {
      var front := t[..|t| - 1];
      assert (s + t)[..|s + t| - 1] == s + front;
      CollectConcat(f, s, front);
    }
  }

  function Kept(entries: seq<Input>): seq<Input> {
    Collect(Normalized, entries)
  }

  predicate Usable(x: Input) {
    x.uri != "" && |x.uri| <= MAX_URI && x.dest != "" && Contained(x.dest)
  }

  function Bounded<T>(s: seq<T>, n: nat): seq<T> {
    if |s| <= n then s else s[..n]
  }

  lemma NormalizedUsable(e: Input)
    ensures |Normalized(e)| <= 1 && forall x <- Normalized(e) :: Usable(x)
  {
    SanitizeContained(e.dest);
  }

  lemma {:induction false} KeptUsable(entries: seq<Input>)
    ensures |Kept(entries)| <= |entries| && forall x <- Kept(entries) :: Usable(x)
  {
    if entries == [] {
    } else {
      KeptUsable(entries[..|entries| - 1]);
      NormalizedUsable(entries[|entries| - 1]);
    }
  }

  /** An entry is kept exactly when it has a link and an acceptable destination; what is kept of it is its
      own link, stripped and cut, and its own destination. */
  lemma NormalizedIff(e: Input)
    ensures Normalized(e) != [] <==> Strip(e.uri) != "" && Acceptable(e.dest)
    ensures Normalized(e) != [] ==>
              var x := Normalized(e)[0];
              && x.uri <= Strip(e.uri) && |x.uri| == (if |Strip(e.uri)| < MAX_URI then |Strip(e.uri)| else MAX_URI)
              && x.dest == Sanitize(e.dest)
  {
    SanitizeMeans(e.dest);
  }

  /** The entries are taken one by one and in order. */
  lemma KeptInOrder(earlier: seq<Input>, later: seq<Input>)
    ensures Kept(earlier + later) == Kept(earlier) + Kept(later)
  {
    CollectConcat(Normalized, earlier, later);
  }

  lemma KeptSnoc(entries: seq<Input>, i: nat)
    requires i < |entries|
    ensures Kept(entries[..i + 1]) == Kept(entries[..i]) + Normalized(entries[i])
  {
    assert entries[..i + 1][..i] == entries[..i];
  }

  /** `_normalize_inputs`: of the first twenty entries, in order, those with a link and an acceptable
      destination. */
  method NormalizeInputs(entries: seq<Input>) returns (out: seq<Input>)
    ensures out == Kept(Bounded(entries, MAX_INPUTS)) && |out| <= MAX_INPUTS
    ensures forall x <- out :: Usable(x)
  {
    var first := Bounded(entries, MAX_INPUTS);
    out := [];
    for i := 0 to |first|
      invariant out == Kept(first[..i])
    {
      KeptSnoc(first, i);
      out := out + Normalized(first[i]);
    }
    assert first[..|first|] == first;
    KeptUsable(first);
  }

  datatype File = File(name: string, text: string)

  /** Every name sanitised and every text cut. */
  function Cleaned(raw: seq<File>): (r: seq<File>)
    ensures |r| == |raw|
  {
    if raw == [] then []
    else
      var f := raw[|raw| - 1];
      Cleaned(raw[..|raw| - 1]) + [File(Sanitize(f.name), Prefix(f.text, MAX_FILE))]
  }

  lemma {:induction false} CleanedAt(raw: seq<File>, i: nat)
    requires i < |raw|
    ensures Cleaned(raw)[i] == File(Sanitize(raw[i].name), Prefix(raw[i].text, MAX_FILE))
    ensures Cleaned(raw[..i + 1]) == Cleaned(raw[..i]) + [Cleaned(raw)[i]]
  {
    assert raw[..i + 1][..i] == raw[..i];
    if i < |raw| - 1 {
      CleanedAt(raw[..|raw| - 1], i);
    } else {
      assert raw[..i + 1] == raw;
    }
  }

  /** Later files replace earlier ones of the same name; nameless ones are dropped. */
  function FilesOf(files: seq<File>): map<string, string> {
    if files == [] then map[]
    else
      var before, f := FilesOf(files[..|files| - 1]), files[|files| - 1];
      if f.name == "" then before else before[f.name := f.text]
  }

  predicate Offered(files: seq<File>, name: string) {
    exists f <- files :: f.name == name
  }

  /** The files of a context are the named ones. */
  lemma {:induction false} FilesIff(files: seq<File>, name: string)
    ensures name in FilesOf(files) <==> name != "" && Offered(files, name)
  {
    if files == [] {
    } else {
      FilesIff(files[..|files| - 1], name);
      OfferedSnoc(files[..|files| - 1], files[|files| - 1], name);
      assert files == files[..|files| - 1] + [files[|files| - 1]];
    }
  }

  lemma OfferedSnoc(files: seq<File>, f: File, name: string)
    ensures Offered(files + [f], name) <==> Offered(files, name) || f.name == name
  {
    assert f in files + [f];
  }

  /** Of several files under one name the last counts. */
  lemma {:induction false} LastFileCounts(earlier: seq<File>, f: File, later: seq<File>)
    requires f.name != "" && !Offered(later, f.name)
    ensures var files := FilesOf(earlier + [f] + later); f.name in files && files[f.name] == f.text
  {
    if later == [] {
      FilesSnoc(earlier, f);
      assert earlier + [f] + later == earlier + [f];
    } else {
      var before, last := later[..|later| - 1], later[|later| - 1];
      assert later == before + [last];
      OfferedSnoc(before, last, f.name);
      LastFileCounts(earlier, f, before);
      FilesSnoc(earlier + [f] + before, last);
      assert earlier + [f] + later == earlier + [f] + before + [last];
    }
  }

  /** Every file of a context lies inside it. */
  lemma FilesContained(raw: seq<File>, rel: string)
    requires rel in FilesOf(Cleaned(raw))
    ensures rel != "" && Contained(rel)
  {
    FilesIff(Cleaned(raw), rel);
    var f :| f in Cleaned(raw) && f.name == rel;
    var i :| 0 <= i < |raw| && Cleaned(raw)[i].name == rel;
    CleanedAt(raw, i);
    SanitizeContained(raw[i].name);
  }

  /** `_normalize_build_context`; without a Dockerfile there is no context. */
  method NormalizeBuildContext(dockerfile: string, raw: seq<File>) returns (some: bool, text: string, files: map<string, string>)
    ensures some == (Strip(dockerfile) != "")
    ensures some ==> text == Prefix(dockerfile, MAX_DOCKERFILE) && files == FilesOf(Cleaned(Bounded(raw, MAX_FILES)))
    ensures forall rel <- files :: rel != "" && Contained(rel)
  {
    some, text, files := false, "", map[];
    if Strip(dockerfile) == "" { return; }
    some, text := true, Prefix(dockerfile, MAX_DOCKERFILE);
    var first := Bounded(raw, MAX_FILES);
    for i := 0 to |first|
      invariant files == FilesOf(Cleaned(first[..i]))
    {
      CleanedAt(first, i);
      var rel, content := Sanitize(first[i].name), Prefix(first[i].text, MAX_FILE);
      FilesSnoc(Cleaned(first[..i]), File(rel, content));
      if rel != "" {
        files := files[rel := content];
      }
    }
    assert first[..|first|] == first;
    forall rel | rel in files
      ensures rel != "" && Contained(rel)
    {
      FilesContained(first, rel);
    }
  }

  lemma FilesSnoc(files: seq<File>, f: File)
    ensures FilesOf(files + [f]) == if f.name == "" then FilesOf(files) else FilesOf(files)[f.name := f.text]
  {
    assert (files + [f])[..|files|] == files;
  }
}
