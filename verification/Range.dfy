/** Ranged preview of a deposit: the Range header, and the stream of chunk slices that answers it. */
module Range {
  import opened Wrappers
  import opened Text
  import opened Chunks
  import opened Deposit

  // ---- reading numbers ----

  /** Digits with single underscores between them. */
  predicate Grouped(s: string) {
    && s != "" && IsDigit(s[0]) && IsDigit(s[|s| - 1])
    && (forall i :: 0 <= i < |s| ==> IsDigit(s[i]) || s[i] == '_')
    && (forall i :: 0 <= i < |s| - 1 ==> !(s[i] == '_' && s[i + 1] == '_'))
  }

  function Ungroup(s: string): (r: string)
    ensures (forall i :: 0 <= i < |s| ==> IsDigit(s[i]) || s[i] == '_') ==> AllDigits(r)
  {
    if s == "" then "" else (if s[0] == '_' then "" else [s[0]]) + Ungroup(s[1..])
  }

  /** Python refuses to read longer numbers (since 3.10.7), not counting underscores. */
  const MAX_DIGITS := 4300

  function Unsigned(s: string): Option<int> {
    if Grouped(s) && |Ungroup(s)| <= MAX_DIGITS then Some(Value(Ungroup(s))) else None
  }

  /** `int(s)` on ASCII text; `None` is a ValueError. */
  function ParseInt(s: string): Option<int> {
    var t := Strip(s);
    var signed := t != "" && (t[0] == '-' || t[0] == '+');
    var digits := if signed then t[1..] else t;
    var n := Unsigned(digits);
    if n.Some? && signed && t[0] == '-' then Some(0 - n.value) else n
  }

  lemma {:induction false} UngroupDigits(s: string)
    requires AllDigits(s)
    ensures Ungroup(s) == s
  {
    if s == "" {
    } else {
      assert IsDigit(s[0]);
      assert forall c <- s[1..] :: c in s;
      UngroupDigits(s[1..]);
    }
  }

  lemma ParseDigits(s: string)
    requires s != "" && AllDigits(s)
    ensures Strip(s) == s && ParseInt(s) == if |s| <= MAX_DIGITS then Some(Value(s)) else None
  {
    DigitsStripped(s);
    UnsignedDigits(s);
  }

  lemma UnsignedDigits(s: string)
    requires s != "" && AllDigits(s)
    ensures Unsigned(s) == if |s| <= MAX_DIGITS then Some(Value(s)) else None
  {
    DigitsGrouped(s);
    UngroupDigits(s);
  }

  lemma DigitsStripped(s: string)
    requires s != "" && AllDigits(s)
    ensures Strip(s) == s && IsDigit(s[0])
  {
    assert s[0] in s && s[|s| - 1] in s;
    StripIff(s);
  }

  lemma DigitsGrouped(s: string)
    requires s != "" && AllDigits(s)
    ensures Grouped(s)
  {
    assert forall i :: 0 <= i < |s| ==> s[i] in s;
  }

  // ---- the header ----

  function LowerAscii(c: char): char {
    if 'A' <= c <= 'Z' then c + 32 as char else c
  }

  predicate BytesUnit(header: string) {
    |header| >= 6 && forall i :: 0 <= i < 6 ==> LowerAscii(header[i]) == "bytes="[i]
  }

  /** Up to, and after, the first occurrence of a character. */
  function Before(s: string, c: char): string {
    if s == "" || s[0] == c then "" else [s[0]] + Before(s[1..], c)
  }

  function After(s: string, c: char): string
    requires c in s
  {
    if s[0] == c then s[1..] else After(s[1..], c)
  }

  /** The `(start, end)` a pair of trimmed ends denotes, before any check against the length. */
  function Ends(lo: string, hi: string, total: nat): Option<(int, int)> {
    if lo == "" then
      var n := ParseInt(hi);
      if n.None? || n.value <= 0 || total == 0 then None
      else Some((if total - n.value > 0 then total - n.value else 0, total - 1))
    else
      var start := ParseInt(lo);
      var end := if hi == "" then Some(total - 1) else ParseInt(hi);
      if start.None? || end.None? then None else Some((start.value, end.value))
  }

  /** `_parse_range_header`. */
  function ParseRange(header: string, total: nat): Option<(int, int)> {
    if !BytesUnit(header) then None
    else
      var all := Strip(header[6..]);
      var spec := if ',' in all then Strip(Before(all, ',')) else all;
      if '-' !in spec then None
      else
        var ends := Ends(Strip(Before(spec, '-')), Strip(After(spec, '-')), total);
        if ends.None? then None
        else
          var (start, end) := ends.value;
          if start < 0 || end < start || start >= total then None
          else Some((start, if end < total - 1 then end else total - 1))
  }

  // ---- several ranges ----

  lemma {:induction false} LStripUpTo(s: string, c: char, rest: string)
    requires !IsSpace(c)
    ensures LStrip(s + [c] + rest) == LStrip(s) + [c] + rest
  {
    if s == "" {
      assert s + [c] + rest == [c] + rest;
    } else {
      assert s + [c] + rest == [s[0]] + (s[1..] + [c] + rest);
      if IsSpace(s[0]) { LStripUpTo(s[1..], c, rest); }
    }
  }

  lemma {:induction false} RStripFrom(s: string, c: char, rest: string)
    requires !IsSpace(c)
    ensures RStrip(s + [c] + rest) == s + [c] + RStrip(rest)
  {
    var all := s + [c] + rest;
    if rest == "" {
      assert all == s + [c];
    } else {
      assert all[|all| - 1] == rest[|rest| - 1];
      if IsSpace(rest[|rest| - 1]) {
        assert all[..|all| - 1] == s + [c] + rest[..|rest| - 1];
        RStripFrom(s, c, rest[..|rest| - 1]);
      }
    }
  }

  lemma {:induction false} BeforeOnly(s: string, c: char, rest: string)
    requires c !in s
    ensures Before(s + [c] + rest, c) == s
  {
    if s == "" {
      assert s + [c] + rest == [c] + rest;
    } else {
      assert s + [c] + rest == [s[0]] + (s[1..] + [c] + rest);
      BeforeOnly(s[1..], c, rest);
    }
  }

  lemma StripAround(s: string, c: char, rest: string)
    requires !IsSpace(c)
    ensures Strip(s + [c] + rest) == LStrip(s) + [c] + RStrip(rest)
  {
    LStripUpTo(s, c, rest);
    RStripFrom(LStrip(s), c, rest);
  }

  /** Of several ranges the first is answered and the others are ignored. */
  lemma FirstOfSeveral(unit: string, first: string, rest: string, total: nat)
    requires |unit| == 6 && ',' !in first
    ensures ParseRange(unit + first + [','] + rest, total) == ParseRange(unit + first, total)
  {
    var many, one := unit + first + [','] + rest, unit + first;
    assert many[6..] == first + [','] + rest && one[6..] == first;
    assert forall i :: 0 <= i < 6 ==> many[i] == unit[i] && one[i] == unit[i];
    StripAround(first, ',', rest);
    BeforeOnly(LStrip(first), ',', RStrip(rest));
  }

  /** Whatever the header says, an accepted range lies inside the file. */
  lemma RangeInBounds(header: string, total: nat)
    ensures var r := ParseRange(header, total);
            r.Some? ==> 0 <= r.value.0 <= r.value.1 < total
  {
  }

  // ---- what section 14.1.2 of RFC 9110 asks for ----

  datatype ByteRange = Between(first: nat, last: nat) | From(first: nat) | LastBytes(count: nat)

  /** Whether the range selects position `i` of a representation of this length. */
  predicate Selects(r: ByteRange, total: nat, i: int) {
    && 0 <= i < total
    && match r
       case Between(first, last) => first <= i <= last
       case From(first) => first <= i
       case LastBytes(count) => total - count <= i
  }

  /** The range written `first-last` with either end left out, but not both. */
  function Written(first: string, last: string): ByteRange
    requires AllDigits(first) && AllDigits(last)
  {
    if first == "" then LastBytes(Value(last))
    else if last == "" then From(Value(first))
    else Between(Value(first), Value(last))
  }

  lemma {:induction false} BeforeFirst(a: string, c: char, b: string)
    requires c !in a
    ensures c in a + [c] + b
    ensures Before(a + [c] + b, c) == a && After(a + [c] + b, c) == b
  {
    var s := a + [c] + b;
    assert s[|a|] == c;
    if a == "" {
    } else {
      BeforeFirst(a[1..], c, b);
      assert s[1..] == a[1..] + [c] + b;
      assert [a[0]] + a[1..] == a;
    }
  }

  lemma DigitsTrimmed(s: string)
    requires AllDigits(s)
    ensures Strip(s) == s
  {
    if s != "" { ParseDigits(s); }
  }

  lemma SpecTrimmed(first: string, last: string)
    requires AllDigits(first) && AllDigits(last)
    ensures Strip(first + "-" + last) == first + "-" + last
    ensures ',' !in first + "-" + last && '-' !in first
  {
    var s := first + "-" + last;
    assert !IsSpace('-');
    assert forall c <- s :: IsDigit(c) || c == '-';
    assert s[0] in s && s[|s| - 1] in s;
    StripIff(s);
  }

  /** A grammatical single byte range: `bytes=first-last` in any case, digits at either end. */
  predicate Grammatical(header: string, first: string, last: string) {
    && BytesUnit(header) && AllDigits(first) && AllDigits(last) && (first != "" || last != "")
    && header[6..] == first + "-" + last
  }

  /** Both ends are short enough to be read. */
  predicate Readable(first: string, last: string) {
    |first| <= MAX_DIGITS && |last| <= MAX_DIGITS
  }

  /** Both ends of a range over a file of `total` bytes, before the file's own length clips them. */
  function Bounds(written: ByteRange, total: nat): Option<(int, int)> {
    match written
    case Between(f, l) => Some((f, l))
    case From(f) => Some((f, total - 1))
    case LastBytes(n) =>
      if n == 0 || total == 0 then None else Some((if total - n > 0 then total - n else 0, total - 1))
  }

  function Clip(ends: Option<(int, int)>, total: nat): Option<(int, int)> {
    if ends.None? || ends.value.0 < 0 || ends.value.1 < ends.value.0 || ends.value.0 >= total then None
    else Some((ends.value.0, if ends.value.1 < total - 1 then ends.value.1 else total - 1))
  }

  lemma EndsOfWritten(first: string, last: string, total: nat)
    requires AllDigits(first) && AllDigits(last) && (first != "" || last != "")
    ensures Ends(first, last, total) ==
            if Readable(first, last) then Bounds(Written(first, last), total) else None
  {
    if first != "" { ParseDigits(first); }
    if last != "" { ParseDigits(last); }
  }

  lemma ParseGrammatical(header: string, first: string, last: string, total: nat)
    requires Grammatical(header, first, last)
    ensures ParseRange(header, total) ==
            Clip(Ends(first, last, total), total)
  {
    SpecTrimmed(first, last);
    BeforeFirst(first, '-', last);
    DigitsTrimmed(first);
    DigitsTrimmed(last);
  }

  /** The answer is what the standard asks for: exactly the positions the range selects, or a refusal when
      it selects none. */
  ghost predicate Right(r: Option<(int, int)>, written: ByteRange, total: nat) {
    if r.None? then forall i :: !Selects(written, total, i)
    else r.value.0 <= r.value.1 && forall i :: Selects(written, total, i) <==> r.value.0 <= i <= r.value.1
  }

  ghost predicate SelectsNothing(written: ByteRange, total: nat) {
    forall i :: !Selects(written, total, i)
  }

  lemma ClipIsRight(written: ByteRange, total: nat)
    ensures Right(Clip(Bounds(written, total), total), written, total)
  {
    var r := Clip(Bounds(written, total), total);
    if r.Some? {
      forall i ensures Selects(written, total, i) <==> r.value.0 <= i <= r.value.1 {
      }
    } else {
      forall i ensures !Selects(written, total, i) {
      }
    }
  }

  /** Every grammatical range is answered rightly exactly when its ends are short enough to be read, or it
      selects nothing anyway. */
  lemma RangeMeansRfcIff(header: string, first: string, last: string, total: nat)
    requires Grammatical(header, first, last)
    ensures Right(ParseRange(header, total), Written(first, last), total) <==>
            Readable(first, last) || SelectsNothing(Written(first, last), total)
  {
    ParseGrammatical(header, first, last, total);
    EndsOfWritten(first, last, total);
    ClipIsRight(Written(first, last), total);
  }

  function Nines(n: nat): (s: string)
    ensures |s| == n && AllDigits(s)
  {
    if n == 0 then "" else "9" + Nines(n - 1)
  }

  /** One digit too many: a range over a file that is not empty, refused. */
  lemma LongRangeRefused(total: nat)
    requires total > 0
    ensures var header := "bytes=" + "0-" + Nines(MAX_DIGITS + 1);
            && Grammatical(header, "0", Nines(MAX_DIGITS + 1)) && Selects(Written("0", Nines(MAX_DIGITS + 1)), total, 0)
            && ParseRange(header, total).None?
  {
    var last := Nines(MAX_DIGITS + 1);
    var header := "bytes=" + "0-" + last;
    assert header[6..] == "0" + "-" + last;
    assert AllDigits("0") && "0"[..0] == "" && Value("") == 0 && Value("0") == 0;
    ParseGrammatical(header, "0", last, total);
    EndsOfWritten("0", last, total);
  }

  // ---- the stream ----

  /** `s[lo:hi]` with both ends clamped. */
  function Clamped(s: Bytes, lo: nat, hi: nat): Bytes {
    var to := if hi < |s| then hi else |s|;
    if lo < to then s[lo..to] else []
  }

  function AtLeastZero(x: int): nat {
    if x < 0 then 0 else x
  }

  lemma {:induction false} FlattenSnoc(parts: seq<Bytes>, x: Bytes)
    ensures Flatten(parts + [x]) == Flatten(parts) + x
  {
    if parts == [] {
      assert Flatten([x]) == x + Flatten([]);
    } else {
      FlattenSnoc(parts[1..], x);
      assert (parts + [x])[1..] == parts[1..] + [x];
    }
  }

  lemma ChunkOf(x: nat, n: nat)
    requires n > 0
    ensures Offset(x / n, n) <= x < Offset(x / n, n) + n
  {
    OffsetIs(x / n, n);
  }

  lemma {:induction false} OffsetGrows(i: nat, j: nat, n: nat)
    requires i < j
    ensures Offset(i, n) + n <= Offset(j, n)
  {
    if i + 1 < j { OffsetGrows(i, j - 1, n); }
  }

  lemma SubSlice(file: Bytes, a: nat, b: nat, lo: nat, hi: nat)
    requires a <= b <= |file| && lo <= hi <= b - a
    ensures file[a..b][lo..hi] == file[a + lo..a + hi]
  {
    assert forall i :: 0 <= i < hi - lo ==> file[a..b][lo..hi][i] == file[a + lo..a + hi][i];
  }

  /** One slice, given where its chunk lies relative to the range. */
  lemma SliceOfPiece(file: Bytes, n: nat, at: nat, start: nat, end: nat, first: bool, last: bool)
    requires n > 0 && at < |file| && start <= end < |file|
    requires if first then at <= start < at + n else start < at
    requires if last then at <= end < at + n else at + n <= end
    ensures var from, to := if first then start else at, if last then end + 1 else at + n;
            && start <= from < to <= end + 1
            && SliceOf(Piece(file, n, at), at, first, last, start, end) == file[from..to]
  {
    var chunk := Piece(file, n, at);
    var lo := if first then start - at else 0;
    var hi := if last then end - at + 1 else |chunk|;
    assert chunk == file[at..at + |chunk|];
    assert lo < hi <= |chunk|;
    SubSlice(file, at, at + |chunk|, lo, hi);
    assert Clamped(chunk, lo, hi) == chunk[lo..hi];
  }

  /** Where chunk `idx` lies relative to the range. */
  lemma ChunkPosition(file: Bytes, n: nat, idx: nat, start: nat, end: nat, first: nat, last: nat)
    requires n > 0 && start <= end < |file| && first == start / n && last == end / n && first <= idx <= last
    ensures idx < |Cut(file, n)| && Offset(idx, n) < |file| && Cut(file, n)[idx] == Piece(file, n, Offset(idx, n))
    ensures if idx == first then Offset(idx, n) <= start < Offset(idx, n) + n else start < Offset(idx, n)
    ensures if idx == last then Offset(idx, n) <= end < Offset(idx, n) + n else Offset(idx, n) + n <= end
  {
    ChunkOf(start, n);
    ChunkOf(end, n);
    if first < idx { OffsetGrows(first, idx, n); }
    if idx < last { OffsetGrows(idx, last, n); }
    InsideIff(file, n, idx);
    CutAt(file, n, idx);
  }

  /** How much of the file has been streamed when chunk `idx` is next. */
  ghost function Streamed(idx: nat, first: nat, last: nat, start: nat, end: nat, n: nat): nat {
    if idx == first then start else if idx <= last then Offset(idx, n) else end + 1
  }

  /** The part of chunk `idx` that is streamed. */
  function SliceOf(plaintext: Bytes, at: nat, first: bool, last: bool, start: nat, end: nat): Bytes {
    var lo := if first then start - at else 0;
    var hi := if last then end - at + 1 else |plaintext|;
    Clamped(plaintext, AtLeastZero(lo), AtLeastZero(hi))
  }

  /** One slice more: from what was streamed before chunk `idx` to what has been streamed after it. */
  lemma NextSlice(file: Bytes, n: nat, idx: nat, start: nat, end: nat, first: nat, last: nat)
    requires n > 0 && start <= end < |file| && first == start / n && last == end / n && first <= idx <= last
    ensures idx < |Cut(file, n)|
    ensures var pos, next := Streamed(idx, first, last, start, end, n), Streamed(idx + 1, first, last, start, end, n);
            && start <= pos <= next <= end + 1
            && SliceOf(Cut(file, n)[idx], Offset(idx, n), idx == first, idx == last, start, end) == file[pos..next]
  {
    ChunkPosition(file, n, idx, start, end, first, last);
    SliceOfPiece(file, n, Offset(idx, n), start, end, idx == first, idx == last);
  }

  lemma Extend(file: Bytes, pieces: seq<Bytes>, start: nat, pos: nat, next: nat)
    requires start <= pos <= next <= |file| && Flatten(pieces) == file[start..pos]
    ensures Flatten(pieces + [file[pos..next]]) == file[start..next]
  {
    FlattenSnoc(pieces, file[pos..next]);
    assert file[start..pos] + file[pos..next] == file[start..next];
  }

  /** The pieces streamed for an inclusive range of a non-empty deposit, each chunk decrypted and sliced
      in turn: together they are the slice of the file that was deposited. */
  method StreamRange(c: Aead, stored: seq<Bytes>, n: nat, start: nat, end: nat, ghost file: Bytes) returns (pieces: seq<Bytes>)
    requires n > 0 && start <= end < |file| && DepositOf(c, stored, n, file)
    ensures Flatten(pieces) == file[start..end + 1]
  {
    pieces := [];
    var first, last := start / n, end / n;
    Ordered(start, end, n);
    ghost var pos := start;
    var idx := first;
    while idx <= last
      invariant first <= idx <= last + 1
      invariant start <= pos <= end + 1 && pos == Streamed(idx, first, last, start, end, n)
      invariant Flatten(pieces) == file[start..pos]
    {
      ghost var next := Streamed(idx + 1, first, last, start, end, n);
      var piece := FetchSlice(c, stored, n, idx, start, end, first, last, file);
      Extend(file, pieces, start, pos, next);
      pieces := pieces + [piece];
      idx, pos := idx + 1, next;
    }
  }

  /** The stored chunks of a deposit of this file. */
  ghost predicate DepositOf(c: Aead, stored: seq<Bytes>, n: nat, file: Bytes) {
    n > 0 && Lawful(c) && |Cut(file, n)| <= NONCES && stored == EncryptAll(c, Cut(file, n))
  }

  lemma StoredChunk(c: Aead, stored: seq<Bytes>, n: nat, file: Bytes, idx: nat)
    requires DepositOf(c, stored, n, file) && idx < |Cut(file, n)|
    ensures idx < |stored| && idx < NONCES && DecryptChunk(c, stored[idx], idx) == Some(Cut(file, n)[idx])
  {
    ChunkRoundTrip(c, Cut(file, n)[idx], idx);
  }

  /** Chunk `idx`, decrypted and sliced: what takes the stream from where it was to where it goes next. */
  method FetchSlice(c: Aead, stored: seq<Bytes>, n: nat, idx: nat, start: nat, end: nat, first: nat, last: nat, ghost file: Bytes)
      returns (piece: Bytes)
    requires DepositOf(c, stored, n, file)
    requires start <= end < |file| && first == start / n && last == end / n && first <= idx <= last
    ensures var pos, next := Streamed(idx, first, last, start, end, n), Streamed(idx + 1, first, last, start, end, n);
            start <= pos <= next <= end + 1 && piece == file[pos..next]
  {
    NextSlice(file, n, idx, start, end, first, last);
    StoredChunk(c, stored, n, file, idx);
    OffsetIs(idx, n);
    var plaintext := DecryptChunk(c, stored[idx], idx).value;
    piece := SliceOf(plaintext, idx * n, idx == first, idx == last, start, end);
  }

  lemma Ordered(start: nat, end: nat, n: nat)
    requires n > 0 && start <= end
    ensures start / n <= end / n
  {
    ChunkOf(start, n);
    ChunkOf(end, n);
    if end / n < start / n { OffsetGrows(end / n, start / n, n); }
  }

  /** The answer to a preview request: refused, or the streamed pieces, the range and the Content-Length. */
  datatype Preview = Unsatisfiable(total: nat) | Content(pieces: seq<Bytes>, range: Option<(int, int)>, length: int)

  /** The stream of an inclusive range and its Content-Length; of an empty file there is no chunk to read. */
  method StreamWithLength(c: Aead, stored: seq<Bytes>, n: nat, start: nat, end: int, total: nat, ghost file: Bytes)
      returns (pieces: seq<Bytes>, length: int)
    requires total == |file| && DepositOf(c, stored, n, file) && (total > 0 ==> start <= end < total)
    ensures Flatten(pieces) == if total > 0 then file[start..end + 1] else []
    ensures |Flatten(pieces)| == length
  {
    pieces, length := [], 0;
    if total > 0 {
      pieces := StreamRange(c, stored, n, start, end, file);
      length := end - start + 1;
    }
  }

  /** The slice a range asks for, or the refusal of a range that could not be read, with a Content-Length
      that is the number of bytes streamed. */
  ghost predicate Answers(reply: Preview, r: Option<(int, int)>, file: Bytes) {
    if r.None? then reply == Unsatisfiable(|file|)
    else && reply.Content? && reply.range == r && 0 <= r.value.0 <= r.value.1 < |file|
         && Flatten(reply.pieces) == file[r.value.0..r.value.1 + 1] && |Flatten(reply.pieces)| == reply.length
  }

  method ServeRange(r: Option<(int, int)>, c: Aead, stored: seq<Bytes>, n: nat, total: nat, ghost file: Bytes)
      returns (reply: Preview)
    requires total == |file| && DepositOf(c, stored, n, file)
    requires r.Some? ==> 0 <= r.value.0 <= r.value.1 < total
    ensures Answers(reply, r, file)
  {
    if r.None? { return Unsatisfiable(total); }
    var (start, end) := r.value;
    var pieces, length := StreamWithLength(c, stored, n, start, end, total, file);
    return Content(pieces, r, length);
  }

  method ServeWhole(c: Aead, stored: seq<Bytes>, n: nat, total: nat, ghost file: Bytes) returns (reply: Preview)
    requires total == |file| && DepositOf(c, stored, n, file)
    ensures reply.Content? && reply.range.None? && Flatten(reply.pieces) == file && |file| == reply.length
  {
    var pieces, length := StreamWithLength(c, stored, n, 0, total - 1, total, file);
    return Content(pieces, None, length);
  }

  /** `foreign_storage_preview` for an unlocked deposit: an absent header asks for the whole file. */
  method ServePreview(header: string, c: Aead, stored: seq<Bytes>, n: nat, total: nat, ghost file: Bytes) returns (reply: Preview)
    requires total == |file| && DepositOf(c, stored, n, file)
    ensures header == "" ==>
              reply.Content? && reply.range.None? && Flatten(reply.pieces) == file && |file| == reply.length
    ensures header != "" ==> Answers(reply, ParseRange(header, total), file)
  {
    if header == "" {
      reply := ServeWhole(c, stored, n, total, file);
    } else {
      RangeInBounds(header, total);
      reply := ServeRange(ParseRange(header, total), c, stored, n, total, file);
    }
  }
}
